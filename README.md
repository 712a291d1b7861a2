# Place odds and dutching, modelled in Dafny

A model of the logic inside a small Streamlit page. The page fetches the
latest place odds for a Hong Kong race, shows them, and splits a total stake
over the horses the user selects ("dutching"). The split makes the potential
return the same whichever selected horse places. Two pieces of logic are
modelled:

- **`OddsFetcher`** (`odds_fetcher.dfy`): the parsing half of
  `fetch_place_odds`.
  - The decoded response is walked down `data.place.raceOddsList`; a missing
    level gives an empty list.
  - Each record with a truthy horse number and a strictly positive value is
    written into a horse → odds map, and later records overwrite earlier ones.
  - `FetchPlaceOdds` is a method with the loop and the in-place map update.
    It is proved equal to the recursive left fold `Normalised` over the
    records, and the properties of the map are proved about that fold.
- **`Dutching`** (`dutching.dfy`): `dutching_calculator` and the
  expected-profit expression, as functions over exact reals.
  - `inverse_sum` is the sum of `1 / odds[h]` over the selection.
  - Each stake is `total / (odds[h] * inverse_sum)`, and each return is
    `stake * odds[h]`.
  - The lemmas prove the following: every return equals
    `total / inverse_sum`; the stakes add up to the total; this split is the
    only one that has both properties; a single horse takes the whole stake;
    a zero stake gives zeros; the profit's sign depends on `inverse_sum`;
    reordering the selection changes nothing.
- **`Wrappers`** (`wrappers.dfy`): `Option` and `Result`.

The HTTP request is not modelled. Its outcome is the parameter
`OddsFetcher.Response`: either a failed request or a decoded payload.

A record with a truthy horse number but no `value` makes the comparison
`value > 0` raise a `TypeError`. The `try` block does not cover that
comparison, so the error leaves `fetch_place_odds`. The model returns
`Err(MissingValue(i))`, where `i` is the position of the first such record.
It does not exclude that input by a precondition.

## Model

| member | source | states |
|---|---|---|
| OddsFetcher.RaceOddsList | streamlit_app.py:18 | A missing `data`, `place` or `raceOddsList` level gives the empty list. When all three are present, the result is the list itself. |
| OddsFetcher.Step | streamlit_app.py:21-24 | One loop iteration raises exactly on a record with a truthy horse number and no value, naming its position. Otherwise it adds exactly the key of a qualifying record (truthy horse number, value > 0) with that value, and leaves every other entry unchanged. |
| OddsFetcher.Normalised | streamlit_app.py:19-25 | The loop over all records, as a left fold from the empty map. A failure names the position of a record that raises. |
| OddsFetcher.FetchedOdds | streamlit_app.py:14-25 | A failed request gives the empty map, never an error. Every odds value returned is strictly positive. |
| OddsFetcher.FetchPlaceOdds | streamlit_app.py:7-25 | The loop that inserts into `odds` in place ends with the outcome of the left fold `FetchedOdds`. A failed request gives `{}` (lines 14-16). Otherwise the outcome is the fold over `raceOddsList`, and it stops at the first record whose comparison raises. |
| OddsFetcher.FailurePersists | streamlit_app.py:20-23 | Once a prefix of the records has raised, no later record changes the outcome. |
| OddsFetcher.NormalisedFailsAtFirstCrash | streamlit_app.py:20-23 | Parsing fails exactly when some record has a truthy horse number and no value. The reported index is the first such record. |
| OddsFetcher.NormalisedPositive | streamlit_app.py:23-24 | Every odds value in the resulting map is strictly greater than 0. |
| OddsFetcher.NormalisedKeys | streamlit_app.py:20-24 | A horse is a key of the map exactly when some record has that truthy horse number and a value > 0. All other records are dropped. |
| OddsFetcher.NormalisedLastWins | streamlit_app.py:20-24 | A horse's odds are those of its last qualifying record. |
| OddsFetcher.EmptyWhenNothingQualifies | streamlit_app.py:14-25 | The result is the empty map, not an error, when the request failed, when the path is absent, or when no record qualifies and none raises. |
| Dutching.Inverse | streamlit_app.py:29 | `1 / odds[h]` is positive for positive odds. |
| Dutching.InverseSum | streamlit_app.py:29 | `inverse_sum` is non-negative, and strictly positive for a non-empty selection. |
| Dutching.DutchingCalculator | streamlit_app.py:28-32 | Both dictionaries have exactly the selected horses as keys. Every return equals `total / inverse_sum`, so all returns are equal. No stake is negative when the total is not. An empty selection gives two empty dictionaries. |
| Dutching.PayoutOfStake | streamlit_app.py:30-31 | A stake times its horse's odds is `total / inverse_sum`. It is non-negative for a non-negative total. |
| Dutching.StakeIsShare | streamlit_app.py:30 | A stake is the common return times `1 / odds[h]`. |
| Dutching.ExpectedProfit | streamlit_app.py:72 | The first return minus the total equals every selected horse's return minus the total. That is `total / inverse_sum - total`. |
| Dutching.ProfitIndependentOfFirstHorse | streamlit_app.py:72 | Reordering the selection does not change the profit computed from its first horse. |
| Dutching.InverseSumPermutation | streamlit_app.py:29 | `inverse_sum` is the same for every ordering of the selection. |
| Dutching.SelectionOrderIrrelevant | streamlit_app.py:28-32 | Reordering the selection gives the same stake and return maps. |
| Dutching.StakesSumToTotal | streamlit_app.py:29-30 | For a selection without repeats, the stakes in the returned dictionary add up to `total_stake`. |
| Dutching.EqualPayoutIsUnique | streamlit_app.py:28-32 | Any allocation over a repeat-free selection that returns the same on every horse and uses exactly the total is the calculator's. |
| Dutching.RepeatedHorseLosesStake | streamlit_app.py:29-30 | Selecting `[1, 1]` at odds 2.0 with total 100 gives `{1: 50}`, which sums to 50. Line 29 counts a repeated horse twice, but the comprehension keeps one key. |
| Dutching.SingleHorse | streamlit_app.py:28-32 | With the selection `[h]`, the stake is `{h: total}` and the return is `{h: total * odds[h]}`. |
| Dutching.ZeroStake | streamlit_app.py:28-32 | With a total of 0, every stake and every return is 0. |
| Dutching.ProfitOverInverseSum | streamlit_app.py:72 | For a positive total, `total / s - total` is positive exactly when `s < 1`, and zero exactly when `s == 1`. |
| Dutching.ProfitSign | streamlit_app.py:72 | For a positive stake, the profit is positive exactly when `inverse_sum < 1`, and zero exactly when `inverse_sum == 1`. |
| Dutching.TwoHorseExample | streamlit_app.py:28-32 | With odds {1: 2.0, 2: 4.0} and a total of 100: `inverse_sum` is 0.75, the stakes are 200/3 and 100/3, both returns are 400/3, and the profit is 100/3. |
| Dutching.FetchedSelectionIsValid | streamlit_app.py:57-64 | Any non-empty selection drawn from the keys of a successfully parsed odds map meets the calculator's precondition. |

## Left out

- The HTTP request is not modelled: URL, headers, timeout, `raise_for_status`, JSON decoding and the `RequestException` handler (lines 8-16). `Response.RequestFailed` stands for every error that handler catches, and it gives `{}` as the code does. The returned value does not distinguish a failed fetch from an empty result; only the `st.error` message on line 15, which is not modelled, tells them apart.
- The Streamlit UI is not modelled: title, sidebar inputs, auto-refresh, `st.error`, `st.warning`, `st.multiselect` and `st.dataframe` (lines 15, 34-73), and the pandas tables (lines 53, 65-69). It is presentation and timer plumbing.
- `round(..., 2)` on the displayed stakes, returns and profit (lines 67-68, 72) is not modelled. IEEE-754 floating point is not modelled either: all amounts are exact `real`s.
- Dictionary insertion order is not modelled. Dafny maps are unordered, so only `ExpectedProfit` keeps the "first return" choice. It takes the first selected horse, which is the first key the comprehension inserts.
- Horse numbers are integers, and truthy means non-zero. JSON strings or other types as horse numbers or values are not modelled. A comparison that would raise on a non-numeric `value` is not modelled either.
- Malformed JSON shapes are not modelled; an absent `Option` models a missing key only, and `OddsRecord` only a record object. A `data` or `place` level that is present but `null` or not an object makes `.get` raise `AttributeError` (line 18). A `raceOddsList` that is present but `null` is returned by `.get` and makes `for item in None` raise `TypeError` (line 20). An entry of `raceOddsList` that is `null` or not an object makes `item.get` raise `AttributeError` (line 21).
- Dutching.DutchingCalculator: requires every selected horse to be a key of `odds` with a positive value. The source would raise `KeyError` or `ZeroDivisionError`, or compute with non-positive odds. The page only offers keys of the fetched map (lines 57-61), which have positive odds (`FetchedSelectionIsValid`). No `InvalidSelectionError` exists in the code, so none is modelled.
- Dutching.ExpectedProfit: requires a non-empty selection. `list(...)[0]` would raise `IndexError` on an empty one, and the page computes the profit only under `if selected_horses` (line 63).
- Dutching.StakesSumToTotal: holds only for a selection without repeats. `st.multiselect` yields each option at most once. `RepeatedHorseLosesStake` shows what happens otherwise.
